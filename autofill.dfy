/**
 * contents/autofill.tsx: the content script's overlay. It reacts to focus on
 * login fields, fetches the secrets for the page (the server-side `ilike`
 * match is a parameter), pairs the focused input with a username or password
 * input of its form, and fills both from a chosen secret.
 *
 * The DOM is abstracted to `InputElement` objects; `formInputs` stands for
 * `Array.from(focusedInput.form.querySelectorAll("input"))`, in document
 * order, or `None` when the input has no form.
 */
module Autofill {
  import opened Wrappers
  import opened Text
  import opened Records
  import opened Crypto

  /** An `HTMLInputElement`: the attributes the overlay reads, and the value it writes. */
  class InputElement {
    const tagName: string
    const inputType: string
    const name: string
    var value: string

    constructor (tagName: string, inputType: string, name: string, value: string)
      ensures this.tagName == tagName && this.inputType == inputType && this.name == name
      ensures this.value == value
    {
      this.tagName := tagName;
      this.inputType := inputType;
      this.name := name;
      this.value := value;
    }
  }

  // ---------------------------------------------------------------------
  // Focus

  /** The `focusin` target the overlay attaches to: an `INPUT` that is a password field or whose name mentions "user" or "email". */
  predicate IsTrigger(target: InputElement)
  {
    target.tagName == "INPUT" &&
    (target.inputType == "password" || Includes(target.name, "user") || Includes(target.name, "email"))
  }

  /** Whether `handleFocus` starts `fetchSecrets`, given the `secrets` value its closure sees. */
  predicate StartsFetch(target: InputElement, seenSecrets: seq<Secret>)
  {
    IsTrigger(target) && |seenSecrets| == 0
  }

  // ---------------------------------------------------------------------
  // Pairing

  /** `inputs.indexOf(x)`: the first position of `x`, or -1. */
  function IndexOf(inputs: seq<InputElement>, x: InputElement): (idx: int)
    ensures -1 <= idx < |inputs|
    ensures idx == -1 <==> x !in inputs
    ensures 0 <= idx ==> inputs[idx] == x && x !in inputs[..idx]
  {
    if inputs == [] then -1
    else if inputs[0] == x then 0
    else
      var r := IndexOf(inputs[1..], x);
      if r == -1 then -1
      else
        assert inputs[..r + 1] == [inputs[0]] + inputs[1..][..r];
        r + 1
  }

  /** The inputs `fillCredentials` writes: `usernameInput` (maybe null) and `passwordInput`. */
  datatype Targets = Targets(username: Option<InputElement>, password: InputElement)

  /**
   * The pairing of lines 73-93. Without a form the focused input is the
   * password target. A focused password field takes the input just before
   * it as the username target; any other focused input is the username
   * target and takes the next input as password target when that is a
   * password field, and otherwise stays the password target too.
   */
  function PairTargets(focused: InputElement, formInputs: Option<seq<InputElement>>): (t: Targets)
    ensures formInputs.None? ==> t == Targets(None, focused)
    ensures t.password == focused || (formInputs.Some? && t.password in formInputs.value && t.password.inputType == "password")
    ensures t.username.Some? ==> t.username.value == focused || (formInputs.Some? && t.username.value in formInputs.value)
    ensures focused.inputType == "password" ==> t.password == focused
  {
    match formInputs
    case None => Targets(None, focused)
    case Some(inputs) =>
      var idx := IndexOf(inputs, focused);
      if focused.inputType == "password" then
        Targets(if idx > 0 then Some(inputs[idx - 1]) else None, focused)
      else
        Targets(Some(focused),
          if idx < |inputs| - 1 && inputs[idx + 1].inputType == "password" then inputs[idx + 1] else focused)
  }

  /** A focused password field at position `i` of its form takes the input before it, if any, as username target. */
  lemma PasswordFocusPairing(focused: InputElement, inputs: seq<InputElement>, i: nat)
    requires i < |inputs| && inputs[i] == focused && focused !in inputs[..i]
    requires focused.inputType == "password"
    ensures PairTargets(focused, Some(inputs)) == Targets(if i > 0 then Some(inputs[i - 1]) else None, focused)
  {
  }

  /** Any other focused input at position `i` is the username target; the next input is the password target when it is a password field. */
  lemma TextFocusPairing(focused: InputElement, inputs: seq<InputElement>, i: nat)
    requires i < |inputs| && inputs[i] == focused && focused !in inputs[..i]
    requires focused.inputType != "password"
    ensures PairTargets(focused, Some(inputs)) ==
      Targets(Some(focused), if i + 1 < |inputs| && inputs[i + 1].inputType == "password" then inputs[i + 1] else focused)
  {
  }

  /**
   * An input tied to a form it is not inside (the `form` attribute) is not
   * among the form's inputs: `indexOf` gives -1 and, when the form's first
   * input is a password field, that field becomes the password target.
   */
  lemma DetachedInputPairsWithFirst(focused: InputElement, inputs: seq<InputElement>)
    requires focused !in inputs && focused.inputType != "password"
    requires |inputs| > 0 && inputs[0].inputType == "password"
    ensures PairTargets(focused, Some(inputs)) == Targets(Some(focused), inputs[0])
  {
  }

  /** A detached password field (`indexOf` -1) has no username target: `idx > 0` fails. */
  lemma DetachedPasswordPairsAlone(focused: InputElement, inputs: seq<InputElement>)
    requires focused !in inputs && focused.inputType == "password"
    ensures PairTargets(focused, Some(inputs)) == Targets(None, focused)
  {
  }

  /**
   * A detached other input whose form has no inputs, or whose first input is
   * not a password field, is both targets.
   */
  lemma DetachedInputPairsAlone(focused: InputElement, inputs: seq<InputElement>)
    requires focused !in inputs && focused.inputType != "password"
    requires |inputs| == 0 || inputs[0].inputType != "password"
    ensures PairTargets(focused, Some(inputs)) == Targets(Some(focused), focused)
  {
  }

  // ---------------------------------------------------------------------
  // Filling

  /** The assignments `fillCredentials` makes, in order: the username if there is a target and a non-empty username, then a non-empty password. */
  function Writes(t: Targets, username: Option<string>, pwd: string): seq<(InputElement, string)>
  {
    (if t.username.Some? && Truthy(username) then [(t.username.value, username.value)] else [])
    + (if pwd != "" then [(t.password, pwd)] else [])
  }

  /** The inputs a fill may write. */
  function TargetSet(t: Targets): set<InputElement>
  {
    {t.password} + (if t.username.Some? then {t.username.value} else {})
  }

  /** The value `x` holds after `writes`: the last value written to it, else `before`. */
  function ValueAfter(x: InputElement, writes: seq<(InputElement, string)>, before: string): string
  {
    if writes == [] then before
    else ValueAfter(x, writes[1..], if writes[0].0 == x then writes[0].1 else before)
  }

  /** The last write wins: the password if written to `x`, else the username if written to `x`, else the old value. */
  lemma FilledValue(x: InputElement, t: Targets, username: Option<string>, pwd: string, before: string)
    ensures ValueAfter(x, Writes(t, username, pwd), before) ==
      if pwd != "" && x == t.password then pwd
      else if t.username.Some? && Truthy(username) && x == t.username.value then username.value
      else before
  {
    var w := Writes(t, username, pwd);
    if |w| == 2 {
      var rest: seq<(InputElement, string)> := w[1..];
      assert rest == [(t.password, pwd)] && |rest[1..]| == 0;
      var afterFirst := if t.username.value == x then username.value else before;
      assert ValueAfter(x, w, before) == ValueAfter(x, rest, afterFirst);
      assert ValueAfter(x, rest, afterFirst) == ValueAfter(x, rest[1..], if t.password == x then pwd else afterFirst);
    } else if |w| == 1 {
      assert |w[1..]| == 0;
    }
  }

  /** With two different targets, each gets its own credential when that credential is non-empty. */
  lemma FillDistinctTargets(t: Targets, username: Option<string>, pwd: string, beforeUser: string, beforePassword: string)
    requires t.username.Some? && t.username.value != t.password
    ensures ValueAfter(t.username.value, Writes(t, username, pwd), beforeUser)
      == if Truthy(username) then username.value else beforeUser
    ensures ValueAfter(t.password, Writes(t, username, pwd), beforePassword)
      == if pwd != "" then pwd else beforePassword
  {
    FilledValue(t.username.value, t, username, pwd, beforeUser);
    FilledValue(t.password, t, username, pwd, beforePassword);
  }

  /**
   * A focused non-password input with no password field right after it is
   * both targets: the password is written over the username it just received.
   */
  lemma PasswordOverwritesUsername(focused: InputElement, formInputs: Option<seq<InputElement>>, username: Option<string>, pwd: string, before: string)
    requires formInputs.Some? && focused in formInputs.value && focused.inputType != "password"
    requires var i := IndexOf(formInputs.value, focused);
      !(i + 1 < |formInputs.value| && formInputs.value[i + 1].inputType == "password")
    requires pwd != ""
    ensures PairTargets(focused, formInputs) == Targets(Some(focused), focused)
    ensures ValueAfter(focused, Writes(Targets(Some(focused), focused), username, pwd), before) == pwd
  {
    FilledValue(focused, Targets(Some(focused), focused), username, pwd, before);
  }

  /** A failed decryption is not a failed fill: the sentinel is non-empty and is typed into the password target. */
  lemma SentinelIsFilled(t: Targets, username: Option<string>, before: string)
    ensures ValueAfter(t.password, Writes(t, username, DecryptionError), before) == DecryptionError
  {
    FilledValue(t.password, t, username, DecryptionError, before);
  }

  // ---------------------------------------------------------------------
  // Rendering

  datatype Rendering =
    | Nothing
    | Launcher(badge: nat)         // the round "K" button with the number of secrets
    | Panel(entries: seq<Secret>)  // one button per secret
    | PanelLoading

  /** Lines 115-161: nothing without a focused input or secrets; then the launcher or the open panel. */
  function Render(focused: Option<InputElement>, secrets: seq<Secret>, isOpen: bool, loading: bool): (r: Rendering)
    ensures r == Nothing <==> focused.None? || |secrets| == 0
    ensures r.Launcher? ==> r.badge == |secrets| && |secrets| > 0 && !isOpen
    ensures r.Panel? ==> r.entries == secrets && isOpen && !loading
    ensures r.PanelLoading? ==> isOpen && loading
  {
    if focused.None? || |secrets| == 0 then Nothing
    else if !isOpen then Launcher(|secrets|)
    else if loading then PanelLoading
    else Panel(secrets)
  }

  // ---------------------------------------------------------------------
  // The component state

  /** Lines 73-93 of `fillCredentials`: the username and password inputs chosen for the focused one. */
  method PairInputs(focused: InputElement, formInputs: Option<seq<InputElement>>)
    returns (usernameInput: Option<InputElement>, passwordInput: InputElement)
    ensures Targets(usernameInput, passwordInput) == PairTargets(focused, formInputs)
  {
    passwordInput := focused;
    usernameInput := None;
    if formInputs.Some? {
      var inputs := formInputs.value;
      if focused.inputType == "password" {
        var idx := IndexOf(inputs, focused);
        if idx > 0 {
          usernameInput := Some(inputs[idx - 1]);
        }
      } else {
        usernameInput := Some(focused);
        var idx := IndexOf(inputs, focused);
        if idx < |inputs| - 1 && inputs[idx + 1].inputType == "password" {
          passwordInput := inputs[idx + 1];
        }
      }
    }
  }

  /** The `useState` variables of `AutofillOverlay`. */
  class AutofillOverlay {
    var focusedInput: Option<InputElement>
    var secrets: seq<Secret>
    var isOpen: bool
    var loading: bool

    constructor ()
      ensures focusedInput == None && secrets == [] && !isOpen && !loading
      ensures Render(focusedInput, secrets, isOpen, loading) == Nothing
    {
      focusedInput := None;
      secrets := [];
      isOpen := false;
      loading := false;
    }

    /**
     * `handleFocus` as written: the listener is registered once, on mount,
     * so the `secrets` it tests is the initial empty list. `fetches` says
     * whether it starts `fetchSecrets`.
     */
    method HandleFocusAsWritten(target: InputElement) returns (fetches: bool)
      modifies this`focusedInput
      ensures focusedInput == if IsTrigger(target) then Some(target) else old(focusedInput)
      ensures fetches == StartsFetch(target, [])
    {
      var mountedSecrets: seq<Secret> := [];
      fetches := false;
      if IsTrigger(target) {
        focusedInput := Some(target);
        if |mountedSecrets| == 0 {
          fetches := true;
        }
      }
    }

    /** `handleFocus` as evidently intended: it fetches only while no secrets are loaded. */
    method HandleFocus(target: InputElement) returns (fetches: bool)
      modifies this`focusedInput
      ensures focusedInput == if IsTrigger(target) then Some(target) else old(focusedInput)
      ensures fetches == StartsFetch(target, secrets)
    {
      fetches := false;
      if IsTrigger(target) {
        focusedInput := Some(target);
        if |secrets| == 0 {
          fetches := true;
        }
      }
    }

    /** `fetchSecrets`, given the rows the query returns (`None` when it returns no data or throws). */
    method FetchSecrets(data: Option<seq<Secret>>)
      modifies this`secrets, this`loading
      ensures secrets == if data.Some? then data.value else old(secrets)
      ensures !loading
    {
      loading := true;
      if data.Some? {
        secrets := data.value;
      }
      loading := false;
    }

    /**
     * `fillCredentials(secret)`: with a focused input, pair it, decrypt the
     * secret's envelope, make the writes of `Writes` and close the panel;
     * no other input changes.
     */
    method FillCredentials(secret: Secret, crypto: CryptoModule, formInputs: Option<seq<InputElement>>)
      modifies this`isOpen, crypto
      modifies if focusedInput.Some? then TargetSet(PairTargets(focusedInput.value, formInputs)) else {}
      ensures focusedInput.None? ==> unchanged(crypto) && isOpen == old(isOpen)
      ensures focusedInput.Some? ==>
        var t := PairTargets(focusedInput.value, formInputs);
        var (pwd, cache') := DecryptOutcome(crypto.platform, crypto.masterKeyHex, old(crypto.cachedKey), secret.encryptedPassword);
        && crypto.cachedKey == cache'
        && crypto.decryptCalls == old(crypto.decryptCalls) + 1
        && !isOpen
        && forall x :: x in TargetSet(t) ==> x.value == ValueAfter(x, Writes(t, secret.username, pwd), old(x.value))
    {
      if focusedInput.None? {
        return;
      }
      var usernameInput, passwordInput := PairInputs(focusedInput.value, formInputs);
      ghost var t := Targets(usernameInput, passwordInput);
      var pwd := crypto.DecryptPassword(secret.encryptedPassword);
      if usernameInput.Some? && Truthy(secret.username) {
        usernameInput.value.value := secret.username.value;
      }
      if pwd != "" {
        passwordInput.value := pwd;
      }
      isOpen := false;
      forall x | x in TargetSet(t)
        ensures x.value == ValueAfter(x, Writes(t, secret.username, pwd), old(x.value))
      {
        FilledValue(x, t, secret.username, pwd, old(x.value));
      }
    }
  }

  /**
   * As written: once secrets are loaded, focusing a login field again
   * starts another fetch, because the listener only ever sees the empty
   * list it was created with.
   */
  method RefocusAsWritten(overlay: AutofillOverlay, target: InputElement, rows: seq<Secret>) returns (fetches: bool)
    requires IsTrigger(target) && |rows| > 0
    modifies overlay
    ensures fetches && overlay.secrets == rows
  {
    var first := overlay.HandleFocusAsWritten(target);
    overlay.FetchSecrets(Some(rows));
    fetches := overlay.HandleFocusAsWritten(target);
  }

  /** Corrected: after a fetch that found secrets, focusing a login field again fetches nothing. */
  method RefocusFetchesOnce(overlay: AutofillOverlay, target: InputElement, rows: seq<Secret>) returns (fetches: bool)
    requires IsTrigger(target) && |rows| > 0
    modifies overlay
    ensures !fetches && overlay.secrets == rows
    ensures Render(overlay.focusedInput, overlay.secrets, overlay.isOpen, overlay.loading).Launcher?
      || overlay.isOpen
  {
    var first := overlay.HandleFocus(target);
    overlay.FetchSecrets(Some(rows));
    fetches := overlay.HandleFocus(target);
  }
}
