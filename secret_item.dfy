/**
 * components/secret-item.tsx: the password field of one row of the list.
 * The same `Reveal` machine as the detail pane, without the reset effect,
 * and a mask of twelve bullets.
 */
module SecretItem {
  import opened Wrappers
  import opened Text
  import opened Crypto
  import opened Reveal

  /** `"•".repeat(12)`. */
  const Mask: string := Repeat("\U{2022}", 12)

  /** The hidden password is twelve bullets. */
  lemma MaskIsBullets()
    ensures |Mask| == 12
    ensures forall i :: 0 <= i < |Mask| ==> Mask[i] == '\U{2022}'
  {
    RepeatChar('\U{2022}', 12);
  }

  /** The state of one `SecretItem` component. */
  class SecretItemView {
    /** The envelope of the `secret` prop. */
    const encryptedPassword: string
    var showPassword: bool
    var decrypted: Option<string>
    var loading: bool

    function State(): RevealState
      reads this
    {
      RevealState(showPassword, decrypted, loading)
    }

    /** What the password box shows. */
    function Shown(): string
      reads this
    {
      Display(State(), Mask)
    }

    constructor (encryptedPassword: string)
      ensures State() == Initial && this.encryptedPassword == encryptedPassword
    {
      this.encryptedPassword := encryptedPassword;
      showPassword := false;
      decrypted := None;
      loading := false;
    }

    /** `togglePassword`; the click does not reach the row. */
    method TogglePassword(crypto: CryptoModule)
      modifies this, crypto
      ensures
        var (pwd, cache') := DecryptOutcome(crypto.platform, crypto.masterKeyHex, old(crypto.cachedKey), encryptedPassword);
        && State() == AfterToggle(old(State()), pwd)
        && (ToggleDecrypts(old(State())) ==>
              crypto.cachedKey == cache' && crypto.decryptCalls == old(crypto.decryptCalls) + 1)
      ensures !ToggleDecrypts(old(State())) ==> unchanged(crypto)
    {
      if showPassword {
        showPassword := false;
        return;
      }
      if Truthy(decrypted) {
        showPassword := true;
        return;
      }
      loading := true;
      var pwd := crypto.DecryptPassword(encryptedPassword);
      decrypted := Some(pwd);
      showPassword := true;
      loading := false;
    }

    /** `handleCopyPassword`: returns the text written to the clipboard. */
    method HandleCopyPassword(crypto: CryptoModule) returns (copied: string)
      modifies this, crypto
      ensures
        var (pwd, cache') := DecryptOutcome(crypto.platform, crypto.masterKeyHex, old(crypto.cachedKey), encryptedPassword);
        && (State(), copied) == AfterCopy(old(State()), pwd)
        && (CopyDecrypts(old(State())) ==>
              crypto.cachedKey == cache' && crypto.decryptCalls == old(crypto.decryptCalls) + 1)
      ensures !CopyDecrypts(old(State())) ==> unchanged(crypto)
    {
      if Truthy(decrypted) {
        copied := decrypted.value;
        return;
      }
      loading := true;
      var pwd := crypto.DecryptPassword(encryptedPassword);
      decrypted := Some(pwd);
      copied := pwd;
      loading := false;
    }
  }

  /**
   * Revealing, hiding and revealing again calls `decryptPassword` once when
   * its text is non-empty (the sentinel always is): the text stays cached
   * and is what the box shows.
   */
  method RevealHideReveal(item: SecretItemView, crypto: CryptoModule)
    requires item.State() == Initial
    requires DecryptOutcome(crypto.platform, crypto.masterKeyHex, crypto.cachedKey, item.encryptedPassword).0 != ""
    modifies item, crypto
    ensures crypto.decryptCalls == old(crypto.decryptCalls) + 1
    ensures item.showPassword
    ensures item.decrypted == Some(old(DecryptOutcome(crypto.platform, crypto.masterKeyHex, crypto.cachedKey, item.encryptedPassword).0))
    ensures item.Shown() == item.decrypted.value
  {
    item.TogglePassword(crypto);
    item.TogglePassword(crypto);
    item.TogglePassword(crypto);
  }
}
