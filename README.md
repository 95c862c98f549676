# Keystone vault extension: a Dafny model of its core

Keystone is a browser extension that keeps a team's credentials in a
Supabase table. Passwords are stored only as an `iv:tag:ciphertext`
envelope made with AES-GCM under a master key from the build
configuration. They are decrypted on demand, to be shown, copied or typed
into a login form. This project models the logic around those envelopes.

- **Crypto module** (`lib/crypto.ts`): the hex helpers, the memoised master
  key, `encryptPassword` and `decryptPassword`.
- **Vault popup list** (`components/vault-view.tsx`): search filter, domain
  relevance sort, the "Suggested" / other split, client enrichment and
  selection.
- **Reveal/copy state machine** of the detail pane and of each list row
  (`components/secret-detail.tsx`, `components/secret-item.tsx`).
- **Autofill content script** (`contents/autofill.tsx`): focus trigger,
  field pairing, filling and render guard.
- **"New Secret" form** (`components/add-secret-form.tsx`).

How the model is built:

- Foreign code is a record of function values, `Crypto.WebCrypto`. It
  covers Web Crypto's `importKey`, `encrypt` and `decrypt`, and the UTF-8
  encoder and decoder. What the vault relies on about them is the predicate
  `Crypto.Conforms`:
  - the AES-GCM output is the ciphertext followed by a 16-byte tag
    (`Crypto.AesGcmLength`, part of `Crypto.IsAesGcm`);
  - decryption under the same key and IV inverts encryption
    (`Crypto.IsAesGcm`);
  - UTF-8 decoding that keeps a byte order mark
    (`new TextDecoder("utf-8", { ignoreBOM: true })`) inverts
    `TextEncoder` encoding (`Crypto.IsUtf8`).
- The decoder the source uses, a default `new TextDecoder()`, drops one
  leading U+FEFF (`Text.StripBom`). So the source's round trip gives back
  the plaintext less a leading byte order mark; see "## Findings".
- The lemmas that need these facts take `Conforms` as a precondition.
- The random IV, the clock, the signed-in user and every Supabase answer
  are parameters.
- Pure code (the list pipeline, the envelope template, the pairing rule,
  the payload) is functions and lemmas.
- State that the source changes step by step is classes with those fields:
  - the module-level `cachedKey`;
  - each component's `useState` variables;
  - the `value` of a DOM input.
- Each method is proved against a specification function. The lemmas about
  that function state what the source promises.
- `decryptPassword` never throws. Every failure returns the string
  `"[Decryption Error]"`, and the model keeps it that way
  (`Crypto.DecryptOutcome`). The components therefore cache, show, copy and
  even type this sentinel like any other plaintext.
- A typed error taxonomy, with malformed-envelope, authentication and
  encoding failures reported to the caller, would be a stricter contract.
  The code does not implement one, so the model follows the code.

Modules, one per file:

| module | models |
|---|---|
| `Wrappers` | `Option` and `Result` |
| `Text` | JavaScript string operations: truthiness, ASCII `toLowerCase`, `includes`, `split`/`join` on one character, `repeat`, the byte-order-mark removal of a default `TextDecoder` |
| `Seqs` | `Array.prototype.filter` and the facts about it that the list pipeline uses |
| `Records` | the `clients`, `projects` and `secrets` rows |
| `Crypto` | `lib/crypto.ts` |
| `VaultView` | `components/vault-view.tsx` |
| `Reveal` | the reveal/copy machine shared by the next two modules |
| `SecretDetail` | `components/secret-detail.tsx` |
| `SecretItem` | `components/secret-item.tsx` |
| `Autofill` | `contents/autofill.tsx` |
| `AddSecretForm` | `components/add-secret-form.tsx` |

## Model

| member | source | states |
|---|---|---|
| Crypto.BytesToHex | lib/crypto.ts:11-15 | each byte becomes two lower-case hex digits: the output has length 2·\|bytes\| and every character is in 0-9a-f |
| Crypto.NoColonInHex | lib/crypto.ts:11-15 | the hex of any bytes contains no `:`, so it cannot break the envelope's split |
| Crypto.DigitValue | lib/crypto.ts:5 | `parseInt` reads exactly the hex digits of either case, each as its value in 0..15: a lower-case digit is the one `HexDigit` writes for that value, an upper-case one has the value of its lower-case form |
| Crypto.PairValue | lib/crypto.ts:5 | two lower-case digits parse to the byte whose `toString(16)` they are; a pair that starts with neither a digit, a blank nor a sign is NaN, stored as 0 |
| Crypto.PairSkipsBlankAndPlus | lib/crypto.ts:5 | a leading white space or `+` reads as a leading zero |
| Crypto.PairNegates | lib/crypto.ts:5 | a leading `-` gives the negation of the same pair with `0`, wrapped modulo 256 into the `Uint8Array` cell |
| Crypto.PairIgnoresCase | lib/crypto.ts:5 | a pair of hex digits of either case parses as its lower-case spelling |
| Crypto.HexDecode | lib/crypto.ts:2-8 | `hexToBytes` yields \|hex\|/2 bytes, dropping an odd last character |
| Crypto.HexDecodeAt | lib/crypto.ts:4-6 | byte i is the parse of characters 2i and 2i+1 |
| Crypto.HexToBytes | lib/crypto.ts:2-8 | the for-loop over a `Uint8Array` of \|hex\|/2 cells produces exactly `HexDecode(hex)` |
| Crypto.HexDecodeIsLenient | lib/crypto.ts:3-5 | no validation: upper case parses, "1z" gives 1, "zz" gives 0, "abc" gives one byte, " f" and "+f" give 15, "-1" gives 255, "-z" and "-0" give 0 |
| Crypto.ByteToHexDecodes | lib/crypto.ts:5 | parsing the two digits written for a byte gives the byte back |
| Crypto.HexRoundTrip | lib/crypto.ts:2-15 | `hexToBytes(bytesToHex(b)) == b` for every byte sequence |
| Crypto.KeyLookupMemoises | lib/crypto.ts:18-39 | a cached key is returned and kept; otherwise the cache ends holding exactly the imported key; a missing or empty configured key throws and leaves the cache empty; a second lookup repeats the first one's outcome |
| Crypto.CryptoModule.constructor | lib/crypto.ts:17-18 | the module starts with no cached key |
| Crypto.CryptoModule.GetMasterKey | lib/crypto.ts:20-39 | the outcome and the new cache are those of `KeyLookup`; `importKey` runs only when nothing is cached and a key is configured |
| Crypto.RelativeIndex | lib/crypto.ts:65-66 | a `slice` index, negative ones counted from the end, is clamped into 0..length |
| Crypto.SplitSealed | lib/crypto.ts:62-66 | for an output of at least 16 bytes, the tag is its last 16 bytes, the ciphertext is the prefix before them, and ciphertext ++ tag is the output |
| Crypto.FormatEnvelopeSplits | lib/crypto.ts:68 | splitting the `${iv}:${tag}:${ciphertext}` template on `:` gives back its three hex strings |
| Crypto.EnvelopeParts | lib/crypto.ts:44-68 | with only the AES-GCM length fact (`Crypto.AesGcmLength`) assumed: an envelope has three parts: the IV hex (24 characters for the 12-byte IV), the tag hex (32 characters), and the ciphertext hex (2 characters per encoded byte); parts 3 and 2 decode, concatenated, to the primitive's output |
| Crypto.CryptoModule.EncryptPassword | lib/crypto.ts:41-73 | result and cache are `EncryptOutcome`: the envelope of `Seal`, or the key error rethrown |
| Crypto.MalformedEnvelope | lib/crypto.ts:77-80 | a text without exactly two `:` returns the sentinel and leaves the key cache alone; a result other than the sentinel implies exactly two `:` |
| Crypto.CryptoModule.DecryptPassword | lib/crypto.ts:75-109 | result and cache are `DecryptOutcome`: the split check first, then `content ++ authTag` rebuilt in a fresh array, the key, the primitive, and a default `TextDecoder`; every failure gives the sentinel |
| Crypto.SealOpenRoundTrip | lib/crypto.ts:41-104 | opening a sealed envelope with the same key gives the plaintext less a leading U+FEFF with the default decoder, and the plaintext exactly with `ignoreBOM: true` |
| Crypto.EncryptThenDecrypt | lib/crypto.ts:41-109 | after a successful `encryptPassword`, `decryptPassword` of its envelope keeps the cache and returns the plaintext less a leading byte order mark |
| Crypto.LeadingBomIsLost | lib/crypto.ts:104 | as written, the envelope of "\uFEFFpw" decrypts to "pw", not to the password |
| Crypto.EncryptThenDecryptIgnoringBom | lib/crypto.ts:41-109 | corrected: with a decoder that keeps a byte order mark, `decryptPassword` of the envelope returns exactly the plaintext and keeps the cache |
| Text.IncludesAt | components/vault-view.tsx:142-146 | `includes` holds exactly when the substring occurs at some index |
| Text.Split | lib/crypto.ts:77 | `split(':')` has one more part than there are `:`, and no part contains `:` |
| Text.JoinSplit | lib/crypto.ts:77 | joining the parts of a split gives the text back |
| Text.SplitJoin | lib/crypto.ts:68 | splitting a join of `:`-free parts gives the parts back |
| Text.Repeat | components/secret-item.tsx:116 | `repeat(n)` has n times the length |
| Text.StripBom | lib/crypto.ts:104 | a default `TextDecoder` changes its output only when it starts with U+FEFF, and then removes exactly that one character |
| Text.RepeatChar | components/secret-item.tsx:116 | repeating one character n times gives n copies of it |
| Seqs.Filter | components/vault-view.tsx:172 | `filter` keeps exactly the passing elements and is never longer |
| Seqs.FilterOut | components/vault-view.tsx:173 | the complementary filter keeps exactly the failing elements |
| Seqs.Exclude | components/vault-view.tsx:173 | `filter(x => !removed.includes(x))` keeps exactly the elements not in `removed` |
| Seqs.FilterSplitIsPermutation | components/vault-view.tsx:172-173 | the passing and the failing elements together are a permutation of the input |
| Seqs.FilterAllPass | components/vault-view.tsx:156 | when every element passes, the filter is the identity |
| Seqs.FilterNonePass | components/vault-view.tsx:161 | when no element passes, the passing part is empty and the failing part is the input |
| Seqs.PassingFirstSplits | components/vault-view.tsx:160-169 | a sequence with no failing element before a passing one equals its passing elements followed by its failing ones |
| Seqs.SplitIsPassingFirst | components/vault-view.tsx:160-169 | the passing elements followed by the failing ones are in passing-first order, and each part is recovered by filtering |
| VaultView.FilterSecrets | components/vault-view.tsx:136-157 | an empty query keeps every secret in order; otherwise a secret is kept iff the lower-cased query occurs in its lower-cased title, username, url, client name or project name |
| VaultView.CompareByRelevance | components/vault-view.tsx:160-169 | the comparator is -1 for relevant-before-irrelevant, 1 for the reverse and 0 otherwise; relevant means a non-empty domain and url, one containing the other; with no domain it is constantly 0 |
| VaultView.OrderedIsRelevantFirst | components/vault-view.tsx:160-169 | being in comparator order is the same as having every relevant secret before every irrelevant one |
| VaultView.SortedIsStableSort | components/vault-view.tsx:160-169 | `sortedSecrets` is a permutation of the filtered secrets, in comparator order, with each group in its filtered order |
| VaultView.StableSortIsUnique | components/vault-view.tsx:160-169 | any stable sort with this comparator gives exactly `SortedSecrets` |
| VaultView.NoDomainKeepsOrder | components/vault-view.tsx:161 | with a null or empty domain the sort keeps the filtered order and nothing is suggested |
| VaultView.ExcludeRelevant | components/vault-view.tsx:173 | removing the suggested records leaves exactly the irrelevant ones, in order |
| VaultView.VaultLists | components/vault-view.tsx:136-173 | suggested and other are the relevant and the irrelevant filtered secrets, each in order; together they are a permutation of the filtered list, no record is in both, and without a domain everything is in other |
| VaultView.RelevantSearchHitIsHidden | components/vault-view.tsx:231-264 | as written, a domain-relevant secret that matches the search query is rendered in neither section |
| VaultView.Rendered | components/vault-view.tsx:231-264 | corrected rendering: suggested then other, which is the sorted list and a permutation of the search hits |
| VaultView.ClientIdsOf | components/vault-view.tsx:91 | an id is listed iff some fetched secret has it as a truthy `client_id`, and there are no more ids than secrets |
| VaultView.ClientIdsOfOne | components/vault-view.tsx:91 | one secret contributes its `client_id` iff it is truthy |
| VaultView.ClientIdsOfAppend | components/vault-view.tsx:91 | the ids of a concatenation are the concatenation of the ids: together with `ClientIdsOfOne` this fixes the order and multiplicity, one id per secret with a truthy `client_id`, in secret order |
| VaultView.Dedup | components/vault-view.tsx:91 | `Array.from(new Set(ids))` has the same members and no repeats, and leaves already distinct ids unchanged |
| VaultView.DedupKeepsFirstOrder | components/vault-view.tsx:91 | a `Set` keeps insertion order: each id appears at its first occurrence, so ids come out in the order in which they first appear |
| VaultView.DistinctClientIds | components/vault-view.tsx:91 | the ids sent to the clients query are distinct and non-empty, and they are exactly the secrets' truthy client ids |
| VaultView.ClientsById | components/vault-view.tsx:105 | the map has exactly the ids of the client rows; each entry is one of those rows, with its id; the last row with an id is its entry, as `Map` keeps the last write |
| VaultView.EnrichSecrets | components/vault-view.tsx:107-116 | same length and order; each record keeps its own columns and has no project; it has a client iff its `client_id` is truthy and some fetched row has that id, and that client is such a row |
| VaultView.FindById | components/vault-view.tsx:39 | `find` returns the first listed secret with the id (none before it has that id), and returns none only when no secret has it |
| VaultView.VaultViewState.constructor | components/vault-view.tsx:24-31 | the initial state: no secrets, loading, no error, no domain, empty query, not adding, nothing selected |
| VaultView.VaultViewState.FetchData | components/vault-view.tsx:76-125 | on a query error the error is recorded and the list kept; otherwise the list becomes the enriched secrets, and the clients query is asked for the distinct client ids only when there are some; loading ends false |
| VaultView.VaultViewState.HandleSelectSecret | components/vault-view.tsx:45-53 | selecting stores the id and leaves adding mode; deselecting removes the stored id |
| VaultView.VaultViewState.RestoreSelection | components/vault-view.tsx:34-43 | with a stored id and a non-empty list, the first secret with that id is selected; otherwise the selection is kept |
| VaultView.SelectThenRestore | components/vault-view.tsx:34-53 | after selecting a listed secret with a non-empty id, restoring selects `find`'s first secret with that id, which is the selected secret when no other record shares its id; the list and the stored id are kept |
| Reveal.StepKeepsValid | components/secret-detail.tsx:30-73 | toggle, copy and reset keep "shown implies decrypted, not loading" |
| Reveal.ToggleDisplay | components/secret-detail.tsx:36-56 | hidden shows the mask; a decrypting toggle shows the fresh plaintext; a toggle with a truthy cache shows the cache; a toggle while shown shows the mask |
| Reveal.ToggleTwiceRestores | components/secret-detail.tsx:37-45 | with a truthy cache two toggles decrypt nothing and restore the state |
| Reveal.CopyThenRevealShowsCopied | components/secret-detail.tsx:58-68 | after a copy, revealing shows the copied text without decrypting again |
| Reveal.CacheSticky | components/secret-detail.tsx:42-45 | once a truthy plaintext is cached, no toggle or copy decrypts again or changes it |
| Reveal.AtMostOneDecryptionPerReset | components/secret-detail.tsx:30-73 | when decryption yields non-empty texts (the sentinel included), a secret is decrypted at most once, plus once per reset |
| Reveal.EmptyPlaintextIsDecryptedAgain | components/secret-detail.tsx:42-51 | an empty plaintext is falsy and so is decrypted again on every reveal |
| SecretDetail.MaskAsWrittenIsMojibake | components/secret-detail.tsx:121 | the hidden password shows 60 characters of "â€¢" and no bullet |
| SecretDetail.MaskIsBullets | components/secret-detail.tsx:121 | the corrected mask is twenty bullets |
| SecretDetail.SecretDetailView.Shown | components/secret-detail.tsx:121 | as written, a hidden password shows the 60-character mojibake mask with no bullet; a shown one shows the decrypted text |
| SecretDetail.SecretDetailView.ShownCorrected | components/secret-detail.tsx:121 | corrected, a hidden password shows twenty bullets; a shown one shows what `Shown` does |
| SecretDetail.SecretDetailView.constructor | components/secret-detail.tsx:25-27 | hidden, nothing cached, not loading |
| SecretDetail.SecretDetailView.ReceiveSecret | components/secret-detail.tsx:30-34 | a new secret id resets to hidden, no cache, not loading; the same id keeps the state |
| SecretDetail.SecretDetailView.TogglePassword | components/secret-detail.tsx:36-56 | the state moves by `AfterToggle` with the text `decryptPassword` returns; the crypto module changes, and `decryptPassword` runs once, only when hidden with no truthy cache |
| SecretDetail.SecretDetailView.HandleCopyPassword | components/secret-detail.tsx:58-73 | copies the cache if truthy, without touching the crypto module; otherwise decrypts once, caches and copies the result |
| SecretItem.MaskIsBullets | components/secret-item.tsx:116 | the hidden password is twelve bullets |
| SecretItem.SecretItemView.constructor | components/secret-item.tsx:20-22 | hidden, nothing cached, not loading |
| SecretItem.SecretItemView.TogglePassword | components/secret-item.tsx:24-45 | as in the detail pane: `AfterToggle`, decrypting once only when hidden with no truthy cache |
| SecretItem.SecretItemView.HandleCopyPassword | components/secret-item.tsx:47-63 | as in the detail pane: `AfterCopy`, reusing a truthy cache |
| SecretItem.RevealHideReveal | components/secret-item.tsx:24-45 | reveal, hide, reveal decrypts once and shows the decrypted text |
| Autofill.IndexOf | contents/autofill.tsx:82 | `indexOf` is the first position of the input, or -1 exactly when it is absent |
| Autofill.PairTargets | contents/autofill.tsx:73-93 | without a form only the focused input is a target; the password target is the focused input or a password field of the form; a username target is the focused input or an input of the form |
| Autofill.PasswordFocusPairing | contents/autofill.tsx:79-83 | a focused password field at position i takes input i-1, if i > 0, as username target and is itself the password target |
| Autofill.TextFocusPairing | contents/autofill.tsx:84-91 | any other focused input at position i is the username target; input i+1 is the password target if it exists and is a password field, else the focused input is |
| Autofill.DetachedInputPairsWithFirst | contents/autofill.tsx:84-91 | an input outside its form's subtree (`indexOf` gives -1) is paired with the form's first input when that is a password field |
| Autofill.DetachedPasswordPairsAlone | contents/autofill.tsx:79-83 | a detached password field has no username target and is the password target |
| Autofill.DetachedInputPairsAlone | contents/autofill.tsx:84-91 | a detached other input, in a form with no inputs or whose first input is not a password field, is both targets |
| Autofill.PairInputs | contents/autofill.tsx:73-93 | the statements of `fillCredentials` that choose the inputs produce exactly the targets of `PairTargets` |
| Autofill.FilledValue | contents/autofill.tsx:99-107 | after a fill an input holds the password if written to it, else the username if written to it, else its old value |
| Autofill.FillDistinctTargets | contents/autofill.tsx:99-107 | with two targets, the username goes in iff it is non-empty and the password goes in iff it is non-empty |
| Autofill.PasswordOverwritesUsername | contents/autofill.tsx:84-107 | a non-password field with no password field after it is both targets, and ends holding the password |
| Autofill.SentinelIsFilled | contents/autofill.tsx:104-107 | a failed decryption types "[Decryption Error]" into the password target |
| Autofill.Render | contents/autofill.tsx:115-161 | nothing is rendered iff there is no focused input or no secret; otherwise the launcher with the count, or the open panel listing the secrets or loading |
| Autofill.AutofillOverlay.constructor | contents/autofill.tsx:23-26 | no focused input, no secrets, closed, not loading: renders nothing |
| Autofill.AutofillOverlay.HandleFocusAsWritten | contents/autofill.tsx:28-48 | a trigger input becomes the focused input; the mount-time closure sees an empty list, so every trigger starts a fetch |
| Autofill.AutofillOverlay.HandleFocus | contents/autofill.tsx:29-37 | corrected: a trigger starts a fetch only while the current list is empty |
| Autofill.AutofillOverlay.FetchSecrets | contents/autofill.tsx:50-68 | the list becomes the returned rows whenever `data` is non-null, an empty array included, and is kept otherwise; loading ends false |
| Autofill.AutofillOverlay.FillCredentials | contents/autofill.tsx:70-113 | without a focused input nothing happens; otherwise the envelope is decrypted once, exactly the targets of `PairTargets` receive the writes of `Writes`, and the panel closes |
| Autofill.RefocusAsWritten | contents/autofill.tsx:34-35 | as written, focusing again after secrets were loaded starts another fetch |
| Autofill.RefocusFetchesOnce | contents/autofill.tsx:34-35 | corrected: focusing again after secrets were loaded fetches nothing |
| AddSecretForm.NullIfEmpty | components/add-secret-form.tsx:100-103 | `field \|\| null` is null exactly for the empty field and the field otherwise |
| AddSecretForm.NullIfEmptyRoundTrip | components/add-secret-form.tsx:100-103 | the field is recovered from its column, and a column other than `""` from its field |
| AddSecretForm.PayloadKeepsDraft | components/add-secret-form.tsx:98-108 | the payload reads back as the form, except for the password, and carries the given envelope, user id and time |
| AddSecretForm.Submission | components/add-secret-form.tsx:84-114 | ignored iff title, password or client is empty; then fails on no user, then on a key error; otherwise inserts `BuildPayload` of the envelope |
| AddSecretForm.EnvelopeAlphabet | lib/crypto.ts:68 | an envelope contains only lower-case hex digits and `:` |
| AddSecretForm.StoredPasswordDecrypts | components/add-secret-form.tsx:93-110 | the inserted `encrypted_password` is hex and colons only; `decryptPassword` gives back the typed password less a leading byte order mark, and exactly the password with a BOM-keeping decoder; the other columns read back as the form |
| AddSecretForm.AddSecretFormState.constructor | components/add-secret-form.tsx:36-45 | all fields empty, type "other", no organisation, no clients |
| AddSecretForm.AddSecretFormState.SelectOrganization | components/add-secret-form.tsx:59-79 | with the `onChange` of lines 146-148: the client selection is cleared; an empty organisation clears the clients; a changed organisation loads the returned clients; the invariant holds |
| AddSecretForm.AddSecretFormState.SelectClient | components/add-secret-form.tsx:165-175 | a client offered by the select becomes the selection; the invariant holds |
| AddSecretForm.AddSecretFormState.EditFields | components/add-secret-form.tsx:136-200 | the inputs set the draft's fields |
| AddSecretForm.AddSecretFormState.HandleSubmit | components/add-secret-form.tsx:81-120 | the outcome is `Submission` with what `encryptPassword` returns; the crypto module is untouched unless the guard passes and there is a user; loading ends false once the guard passes |

## Left out

- AES-GCM, `importKey` and the UTF-8 encoder and decoder are foreign code. Their behaviour is only what `Crypto.Conforms` says, with no cipher internals.
- `crypto.getRandomValues` is replaced by an `iv` parameter of twelve bytes.
- Crypto.CryptoModule.EncryptPassword: does not model a rejection by `crypto.subtle.encrypt` itself, because the model's primitive is total. A key error is the only rethrown failure.
- Crypto.HexDecode, Crypto.HexToBytes and the `Text` module: a `string` is a sequence of Unicode scalar values, not of UTF-16 code units. `hex.length` and `substr` count code units in the source, so a character outside the Basic Multilingual Plane is two units there and one here. For example, `hexToBytes("😀")` is one NaN byte, `[0]`, in the source and `[]` in the model. A lone surrogate, which `TextEncoder` would encode as U+FFFD, cannot be represented at all.
- Concurrent calls of `getMasterKey` can each run `importKey` before `cachedKey` is set. The model runs calls one after another.
- The handlers are modelled as atomic. The `loading === true` state in the middle of an `await` is never visible, so the `disabled={loading}` guards of the buttons are not modelled.
- `toLowerCase` folds ASCII letters only. Other Unicode case mappings are not modelled.
- Supabase queries are parameters standing for their answers. This covers the secrets and clients queries of the vault view, the autofill query with its server-side `ilike` domain match, the organisations and clients queries of the form, the insert and `auth.getUser`.
- `chrome.storage` is a field of the vault view. `chrome.tabs`, `new URL(...).hostname` (the current domain is a field), `navigator.clipboard` (the copied text is a result) and `alert`/`console` are not modelled.
- DOM events are not modelled: `dispatchEvent` after a fill, `stopPropagation` in the list row, and the empty `handleClickOutside`. JSX is not modelled beyond the autofill render guard and the vault list sections.
- The organisation list fetched on mount by the form, and its `fetchingOrgs`/`fetchingClients` flags, are not modelled.
- The vault view's `userEmail`, `handleLogout` and `isAddingSecret` toggling by buttons are not modelled.
- A secret record carries only the columns the core reads: id, title, username, encrypted password, url, notes, type, client id and the attached client and project. Other columns of `lib/database.types.ts` and the `secret_type` enum are not modelled.
- Typed errors: a stricter design would report malformed envelopes, failed authentication and bad encoding as typed errors. The code returns the sentinel string, and the model follows the code.
- lib/supabase.ts, popup.tsx and components/login-form.tsx are not part of this model. They hold session wiring and a login form.

## Findings

| source | as written | input that shows it | evidently intended | confidence | as-written member | corrected member |
|---|---|---|---|---|---|---|
| components/vault-view.tsx:231 | the "Suggested" section is rendered only when the search query is empty, while `otherSecrets` (line 173) leaves out every suggested record | current domain "example.com", a secret titled "mail" with url "example.com", query "mail": it matches the search but is listed in neither section | a search hit that is relevant to the current domain is listed | high, not executed | VaultView.RelevantSearchHitIsHidden | VaultView.Rendered |
| components/secret-detail.tsx:121 | the mask literal is "â€¢", the UTF-8 bytes of "•" read as Windows-1252, repeated 20 times | any hidden password: the box shows 60 characters "â€¢â€¢…" | twenty "•" bullets, as the list row draws at components/secret-item.tsx:116 | high, not executed | SecretDetail.MaskAsWrittenIsMojibake | SecretDetail.MaskIsBullets |
| lib/crypto.ts:104 | `decryptPassword` decodes with a default `new TextDecoder()`, whose `ignoreBOM: false` drops a leading U+FEFF, while `TextEncoder` at line 45 encodes it | the password "\uFEFFpw": it is stored, and decrypts to "pw" | `decryptPassword(encryptPassword(p)) == p` for every password, as with `new TextDecoder("utf-8", { ignoreBOM: true })` | medium, not executed | Crypto.LeadingBomIsLost | Crypto.EncryptThenDecryptIgnoringBom |
| contents/autofill.tsx:34 | `handleFocus` is registered once at mount (empty dependency list) and tests the `secrets` of the first render, which is always empty | focus a login field, let the fetch load one secret, focus a login field again: a second fetch starts | fetch only while no secrets are loaded | medium, not executed | Autofill.RefocusAsWritten | Autofill.RefocusFetchesOnce |
