/**
 * components/secret-detail.tsx: the detail pane's password field. Its
 * handlers drive the `Reveal` machine and call `decryptPassword` of the
 * crypto module, whose state (the cached master key) they may change; an
 * effect resets the machine when the `secret` prop gets a new id.
 */
module SecretDetail {
  import opened Wrappers
  import opened Text
  import opened Crypto
  import opened Reveal

  /**
   * The mask as line 121 spells it: "â€¢", the three UTF-8 bytes of a
   * bullet read back as Windows-1252, twenty times.
   */
  const MaskAsWritten: string := Repeat("\U{E2}\U{20AC}\U{A2}", 20)

  /** Twenty bullets, the mask the view means (the list item draws the same bullet). */
  const Mask: string := Repeat("\U{2022}", 20)

  /** As written, the hidden password shows sixty characters of mojibake and not a single bullet. */
  lemma MaskAsWrittenIsMojibake()
    ensures |MaskAsWritten| == 60
    ensures '\U{2022}' !in MaskAsWritten
    ensures MaskAsWritten[..3] == "\U{E2}\U{20AC}\U{A2}"
  {
    RepeatAvoids("\U{E2}\U{20AC}\U{A2}", 20, '\U{2022}');
    assert MaskAsWritten == "\U{E2}\U{20AC}\U{A2}" + Repeat("\U{E2}\U{20AC}\U{A2}", 19);
  }

  /** The intended mask is twenty bullets, so it never shows a character of the password. */
  lemma MaskIsBullets()
    ensures |Mask| == 20
    ensures forall i :: 0 <= i < |Mask| ==> Mask[i] == '\U{2022}'
  {
    RepeatChar('\U{2022}', 20);
  }

  /** The state of one `SecretDetail` component. */
  class SecretDetailView {
    /** The `secret` prop: its id and its envelope. */
    var secretId: string
    var encryptedPassword: string
    var showPassword: bool
    var decrypted: Option<string>
    var loading: bool

    function State(): RevealState
      reads this
    {
      RevealState(showPassword, decrypted, loading)
    }

    /** What the password box shows, with line 121's mask as written: mojibake, never a bullet. */
    function Shown(): (r: string)
      reads this
      ensures !showPassword ==> r == MaskAsWritten && |r| == 60 && '\U{2022}' !in r
      ensures showPassword && decrypted.Some? ==> r == decrypted.value
    {
      MaskAsWrittenIsMojibake();
      Display(State(), MaskAsWritten)
    }

    /** The box with the corrected mask: twenty bullets while hidden, the plaintext as before while shown. */
    function ShownCorrected(): (r: string)
      reads this
      ensures !showPassword ==> |r| == 20 && forall i :: 0 <= i < |r| ==> r[i] == '\U{2022}'
      ensures showPassword ==> r == Shown()
    {
      MaskIsBullets();
      Display(State(), Mask)
    }

    constructor (secretId: string, encryptedPassword: string)
      ensures State() == Initial
      ensures this.secretId == secretId && this.encryptedPassword == encryptedPassword
    {
      this.secretId := secretId;
      this.encryptedPassword := encryptedPassword;
      showPassword := false;
      decrypted := None;
      loading := false;
    }

    /** A new `secret` prop; the effect on `[secret.id]` resets the machine when the id differs. */
    method ReceiveSecret(id: string, envelope: string)
      modifies this
      ensures secretId == id && encryptedPassword == envelope
      ensures id != old(secretId) ==> State() == Initial
      ensures id == old(secretId) ==> State() == old(State())
    {
      if id != secretId {
        showPassword := false;
        decrypted := None;
        loading := false;
      }
      secretId := id;
      encryptedPassword := envelope;
    }

    /**
     * `togglePassword`: the machine moves as `AfterToggle` says, with the
     * text `decryptPassword` returns from the crypto module's current state;
     * the crypto module is touched only when the toggle decrypts.
     */
    method TogglePassword(crypto: CryptoModule)
      modifies this`showPassword, this`decrypted, this`loading, crypto
      ensures
        var (pwd, cache') := DecryptOutcome(crypto.platform, crypto.masterKeyHex, old(crypto.cachedKey), encryptedPassword);
        && State() == AfterToggle(old(State()), pwd)
        && (ToggleDecrypts(old(State())) ==>
              crypto.cachedKey == cache' && crypto.decryptCalls == old(crypto.decryptCalls) + 1)
      ensures !ToggleDecrypts(old(State())) ==> unchanged(crypto)
    {
      if showPassword {
        showPassword := false;
        return;
      }
      if Truthy(decrypted) {
        showPassword := true;
        return;
      }
      loading := true;
      var pwd := crypto.DecryptPassword(encryptedPassword);
      decrypted := Some(pwd);
      showPassword := true;
      loading := false;
    }

    /** `handleCopyPassword`: returns the text written to the clipboard; the machine moves as `AfterCopy` says. */
    method HandleCopyPassword(crypto: CryptoModule) returns (copied: string)
      modifies this`decrypted, this`loading, crypto
      ensures
        var (pwd, cache') := DecryptOutcome(crypto.platform, crypto.masterKeyHex, old(crypto.cachedKey), encryptedPassword);
        && (State(), copied) == AfterCopy(old(State()), pwd)
        && (CopyDecrypts(old(State())) ==>
              crypto.cachedKey == cache' && crypto.decryptCalls == old(crypto.decryptCalls) + 1)
      ensures !CopyDecrypts(old(State())) ==> unchanged(crypto)
    {
      if Truthy(decrypted) {
        copied := decrypted.value;
        return;
      }
      loading := true;
      var pwd := crypto.DecryptPassword(encryptedPassword);
      decrypted := Some(pwd);
      copied := pwd;
      loading := false;
    }
  }
}
