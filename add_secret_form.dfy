/**
 * components/add-secret-form.tsx: the "New Secret" form. The organisation
 * select drives the client list (an effect on `selectedOrgId`), and
 * `handleSubmit` checks the required fields, gets the user, encrypts the
 * password and inserts the row. The Supabase answers (the user, the
 * organisation's clients, the insert error) and the clock are parameters.
 */
module AddSecretForm {
  import opened Wrappers
  import opened Text
  import opened Records
  import opened Crypto

  /** The form's field values when it is submitted. */
  datatype Draft = Draft(
    title: string,
    username: string,
    password: string,
    url: string,
    notes: string,
    secretType: string,
    clientId: string)

  /** The row sent to the `secrets` table. */
  datatype Payload = Payload(
    title: string,
    username: Option<string>,
    encryptedPassword: string,
    url: Option<string>,
    notes: Option<string>,
    clientId: string,
    createdBy: string,
    secretType: string,
    updatedAt: string)

  datatype SubmitOutcome =
    | Ignored                                            // a required field is empty
    | NoUser                                             // "No user found" is thrown
    | EncryptFailed(error: KeyError)                     // `encryptPassword` rethrows
    | InsertAttempted(payload: Payload, rejection: Option<string>)  // `onSuccess` runs when there is no rejection

  /** The guard of line 84: title, password and client are all required. */
  predicate SubmitAllowed(d: Draft)
  {
    d.title != "" && d.password != "" && d.clientId != ""
  }

  /** `field || null`. */
  function NullIfEmpty(s: string): (r: Option<string>)
    ensures r.None? <==> s == ""
    ensures r.Some? ==> r.value == s
  {
    if s == "" then None else Some(s)
  }

  /** The field a nullable column shows in the form: null is the empty field. */
  function FieldOf(column: Option<string>): string
  {
    if column.Some? then column.value else ""
  }

  /** `NullIfEmpty` loses nothing: the field comes back from the column, and a column that is not `""` comes back from its field. */
  lemma NullIfEmptyRoundTrip(s: string, column: Option<string>)
    ensures FieldOf(NullIfEmpty(s)) == s
    ensures column != Some("") ==> NullIfEmpty(FieldOf(column)) == column
  {
  }

  /** The payload of lines 98-108. */
  function BuildPayload(d: Draft, encrypted: string, userId: string, now: string): Payload
  {
    Payload(d.title, NullIfEmpty(d.username), encrypted, NullIfEmpty(d.url), NullIfEmpty(d.notes),
            d.clientId, userId, d.secretType, now)
  }

  /** The form a stored row reads back as, given its password. */
  function DraftOf(p: Payload, password: string): Draft
  {
    Draft(p.title, FieldOf(p.username), password, FieldOf(p.url), FieldOf(p.notes), p.secretType, p.clientId)
  }

  /** The payload keeps every field of the draft but the password, and carries the given envelope, user and time. */
  lemma PayloadKeepsDraft(d: Draft, encrypted: string, userId: string, now: string)
    ensures DraftOf(BuildPayload(d, encrypted, userId, now), d.password) == d
    ensures var p := BuildPayload(d, encrypted, userId, now);
      p.encryptedPassword == encrypted && p.createdBy == userId && p.updatedAt == now
  {
    NullIfEmptyRoundTrip(d.username, None);
    NullIfEmptyRoundTrip(d.url, None);
    NullIfEmptyRoundTrip(d.notes, None);
  }

  /**
   * `handleSubmit` given the user, what `encryptPassword` returns and the
   * insert's error: the guard first, then the user, then the key.
   */
  function Submission(d: Draft, user: Option<string>, encrypted: Result<string, KeyError>, insertError: Option<string>, now: string)
    : (r: SubmitOutcome)
    ensures r.Ignored? <==> !SubmitAllowed(d)
    ensures r.NoUser? <==> SubmitAllowed(d) && user.None?
    ensures r.InsertAttempted? <==> SubmitAllowed(d) && user.Some? && encrypted.Ok?
    ensures r.InsertAttempted? ==> r.payload == BuildPayload(d, encrypted.value, user.value, now) && r.rejection == insertError
  {
    if !SubmitAllowed(d) then Ignored
    else if user.None? then NoUser
    else
      match encrypted
      case Err(e) => EncryptFailed(e)
      case Ok(envelope) => InsertAttempted(BuildPayload(d, envelope, user.value, now), insertError)
  }

  /** Every character of an envelope is a lower-case hex digit or a colon. */
  lemma EnvelopeAlphabet(iv: seq<byte>, tag: seq<byte>, ciphertext: seq<byte>)
    ensures forall i :: 0 <= i < |FormatEnvelope(iv, tag, ciphertext)| ==>
      var c := FormatEnvelope(iv, tag, ciphertext)[i];
      c == ':' || IsLowerHexDigit(c)
  {
    var a, b, e := BytesToHex(iv), BytesToHex(tag), BytesToHex(ciphertext);
    var env := FormatEnvelope(iv, tag, ciphertext);
    assert env == a + [':'] + b + [':'] + e;
    forall i | 0 <= i < |env| ensures env[i] == ':' || IsLowerHexDigit(env[i]) {
      if i < |a| {
        assert env[i] == a[i];
      } else if i == |a| {
      } else if i < |a| + 1 + |b| {
        assert env[i] == b[i - |a| - 1];
      } else if i == |a| + 1 + |b| {
      } else {
        assert env[i] == e[i - |a| - |b| - 2];
      }
    }
  }

  /**
   * What reaches the database: the stored password field is an envelope
   * (lower-case hex and colons only, so never the plaintext unless that is
   * itself such a string), `decryptPassword` with the key cache the
   * submission leaves gives back the typed password less a leading byte
   * order mark (exactly the password with a BOM-keeping decoder), and the
   * other fields read back as the form.
   */
  lemma StoredPasswordDecrypts(w: WebCrypto, keyHex: Option<string>, cache: Option<CryptoKey>, iv: seq<byte>,
                               d: Draft, user: Option<string>, insertError: Option<string>, now: string)
    requires Conforms(w)
    ensures
      var (encrypted, cache') := EncryptOutcome(w, keyHex, cache, iv, d.password);
      var r := Submission(d, user, encrypted, insertError, now);
      r.InsertAttempted? ==>
        && (forall i :: 0 <= i < |r.payload.encryptedPassword| ==>
              r.payload.encryptedPassword[i] == ':' || IsLowerHexDigit(r.payload.encryptedPassword[i]))
        && DecryptOutcome(w, keyHex, cache', r.payload.encryptedPassword) == (StripBom(d.password), cache')
        && DecryptOutcomeWith(w, keyHex, cache', r.payload.encryptedPassword, true) == (d.password, cache')
        && DraftOf(r.payload, d.password) == d
  {
    var (encrypted, cache') := EncryptOutcome(w, keyHex, cache, iv, d.password);
    EncryptThenDecrypt(w, keyHex, cache, iv, d.password);
    EncryptThenDecryptIgnoringBom(w, keyHex, cache, iv, d.password);
    if encrypted.Ok? && SubmitAllowed(d) && user.Some? {
      var key := KeyLookup(w, keyHex, cache).0.value;
      var (ciphertext, tag) := SplitSealed(w.encrypt(key, iv, w.encodeUtf8(d.password)));
      EnvelopeAlphabet(iv, tag, ciphertext);
      PayloadKeepsDraft(d, encrypted.value, user.value, now);
    }
  }

  /** The state of one `AddSecretForm` component (the organisation list it shows is left out). */
  class AddSecretFormState {
    var clients: seq<Client>
    var loading: bool
    var selectedOrgId: string
    var selectedClientId: string
    var title: string
    var username: string
    var password: string
    var url: string
    var notes: string
    var secretType: string

    /** The form's values. */
    function Current(): Draft
      reads this
    {
      Draft(title, username, password, url, notes, secretType, selectedClientId)
    }

    /** Without an organisation there are no clients; a selected client is one of the listed ones. */
    predicate Valid()
      reads this
    {
      && (selectedOrgId == "" ==> clients == [])
      && (selectedClientId == "" || exists c :: c in clients && c.id == selectedClientId)
    }

    constructor ()
      ensures Valid() && !loading
      ensures Current() == Draft("", "", "", "", "", "other", "") && selectedOrgId == ""
    {
      clients := [];
      loading := false;
      selectedOrgId := "";
      selectedClientId := "";
      title := "";
      username := "";
      password := "";
      url := "";
      notes := "";
      secretType := "other";
    }

    /**
     * Choosing an organisation: the `onChange` of lines 146-148, then the
     * effect of lines 59-79 when the id changed. The client selection is
     * cleared; no organisation clears the clients; a new one loads the
     * clients the query returns (`fetched`), if any.
     */
    method SelectOrganization(orgId: string, fetched: Option<seq<Client>>)
      requires Valid()
      modifies this`selectedOrgId, this`selectedClientId, this`clients
      ensures Valid()
      ensures selectedOrgId == orgId && selectedClientId == ""
      ensures orgId == "" ==> clients == []
      ensures orgId != "" && orgId != old(selectedOrgId) && fetched.Some? ==> clients == fetched.value
      ensures orgId != "" && (orgId == old(selectedOrgId) || fetched.None?) ==> clients == old(clients)
    {
      var previous := selectedOrgId;
      selectedOrgId := orgId;
      selectedClientId := "";
      if orgId != previous {
        if orgId == "" {
          clients := [];
          selectedClientId := "";
        } else if fetched.Some? {
          clients := fetched.value;
        }
      }
    }

    /** Choosing a client: the select only offers the empty option and the listed clients. */
    method SelectClient(clientId: string)
      requires Valid()
      requires clientId == "" || exists c :: c in clients && c.id == clientId
      modifies this`selectedClientId
      ensures Valid() && selectedClientId == clientId
    {
      selectedClientId := clientId;
    }

    /** The text inputs and the type select. */
    method EditFields(title: string, username: string, password: string, url: string, notes: string, secretType: string)
      modifies this`title, this`username, this`password, this`url, this`notes, this`secretType
      ensures Current() == Draft(title, username, password, url, notes, secretType, selectedClientId)
    {
      this.title := title;
      this.username := username;
      this.password := password;
      this.url := url;
      this.notes := notes;
      this.secretType := secretType;
    }

    /**
     * `handleSubmit`, given the signed-in user, the random IV, the time and
     * the insert's error. The outcome is `Submission` of the form with what
     * `encryptPassword` returns; the crypto module is used only when the
     * guard passes and there is a user.
     */
    method HandleSubmit(user: Option<string>, iv: seq<byte>, now: string, insertError: Option<string>, crypto: CryptoModule)
      returns (outcome: SubmitOutcome)
      requires |iv| == IvLength
      modifies this`loading, crypto
      ensures
        var (encrypted, cache') := EncryptOutcome(crypto.platform, crypto.masterKeyHex, old(crypto.cachedKey), iv, password);
        && outcome == Submission(Current(), user, encrypted, insertError, now)
        && (SubmitAllowed(Current()) && user.Some? ==> crypto.cachedKey == cache')
      ensures !(SubmitAllowed(Current()) && user.Some?) ==> unchanged(crypto)
      ensures loading == if SubmitAllowed(Current()) then false else old(loading)
    {
      if title == "" || password == "" || selectedClientId == "" {
        return Ignored;
      }
      loading := true;
      if user.None? {
        outcome := NoUser;
      } else {
        var encrypted := crypto.EncryptPassword(password, iv);
        if encrypted.Err? {
          outcome := EncryptFailed(encrypted.error);
        } else {
          var payload := BuildPayload(Current(), encrypted.value, user.value, now);
          outcome := InsertAttempted(payload, insertError);
        }
      }
      loading := false;
    }
  }
}
