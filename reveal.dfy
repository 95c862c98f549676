/**
 * The reveal/copy machine that components/secret-detail.tsx and
 * components/secret-item.tsx each implement with the same three `useState`
 * variables: `showPassword`, `decrypted` (the cached plaintext) and
 * `loading`. The handlers `togglePassword` and `handleCopyPassword` are
 * functions of the state and of the text `decryptPassword` would return;
 * since `decryptPassword` never throws, their `catch` branches are dead.
 */
module Reveal {
  import opened Wrappers
  import opened Text

  datatype RevealState = RevealState(showPassword: bool, decrypted: Option<string>, loading: bool)

  /** `useState(false)`, `useState<string | null>(null)`, `useState(false)`. */
  const Initial: RevealState := RevealState(false, None, false)

  /** The `if (decrypted)` test: a non-empty plaintext is cached. */
  predicate HasCache(s: RevealState)
  {
    Truthy(s.decrypted)
  }

  /** Whether `togglePassword` calls `decryptPassword`. */
  predicate ToggleDecrypts(s: RevealState)
  {
    !s.showPassword && !HasCache(s)
  }

  /** Whether `handleCopyPassword` calls `decryptPassword`. */
  predicate CopyDecrypts(s: RevealState)
  {
    !HasCache(s)
  }

  /** `togglePassword`, where `pwd` is what `decryptPassword` returns if it is called. */
  function AfterToggle(s: RevealState, pwd: string): RevealState
  {
    if s.showPassword then s.(showPassword := false)
    else if HasCache(s) then s.(showPassword := true)
    else s.(decrypted := Some(pwd), showPassword := true, loading := false)
  }

  /** `handleCopyPassword`: the state afterwards and the text written to the clipboard. */
  function AfterCopy(s: RevealState, pwd: string): (RevealState, string)
  {
    if HasCache(s) then (s, s.decrypted.value)
    else (s.(decrypted := Some(pwd), loading := false), pwd)
  }

  /** The password box: the plaintext while shown (nothing for `null`), the mask otherwise. */
  function Display(s: RevealState, mask: string): string
  {
    if s.showPassword then (if s.decrypted.Some? then s.decrypted.value else "") else mask
  }

  /** The states the handlers leave: shown implies something was decrypted, and nothing is loading. */
  predicate Valid(s: RevealState)
  {
    (s.showPassword ==> s.decrypted.Some?) && !s.loading
  }

  /**
   * A user action: a click on the eye or the copy button, carrying what
   * `decryptPassword` would return at that moment, or the detail view's
   * reset when `secret.id` changes.
   */
  datatype Event = Toggle(pwd: string) | Copy(pwd: string) | Reset

  function Step(s: RevealState, e: Event): RevealState
  {
    match e
    case Toggle(pwd) => AfterToggle(s, pwd)
    case Copy(pwd) => AfterCopy(s, pwd).0
    case Reset => Initial
  }

  /** Whether the event calls `decryptPassword`. */
  predicate Decrypts(s: RevealState, e: Event)
  {
    match e
    case Toggle(_) => ToggleDecrypts(s)
    case Copy(_) => CopyDecrypts(s)
    case Reset => false
  }

  function Run(s: RevealState, events: seq<Event>): RevealState
    decreases |events|
  {
    if events == [] then s else Run(Step(s, events[0]), events[1..])
  }

  /** How many `decryptPassword` calls the events make. */
  function Decryptions(s: RevealState, events: seq<Event>): nat
    decreases |events|
  {
    if events == [] then 0
    else (if Decrypts(s, events[0]) then 1 else 0) + Decryptions(Step(s, events[0]), events[1..])
  }

  function Resets(events: seq<Event>): nat
  {
    if events == [] then 0 else (if events[0].Reset? then 1 else 0) + Resets(events[1..])
  }

  /** Every `decryptPassword` result the events carry is non-empty. */
  predicate NonEmptyResults(events: seq<Event>)
  {
    forall i :: 0 <= i < |events| && !events[i].Reset? ==> events[i].pwd != ""
  }

  /** Every handler keeps the machine in a reachable state. */
  lemma StepKeepsValid(s: RevealState, e: Event)
    requires Valid(s)
    ensures Valid(Step(s, e))
  {
  }

  /**
   * What the password box shows around a toggle: the mask while hidden, the
   * freshly decrypted text after a toggle that decrypts, and the mask again
   * after a toggle that hides.
   */
  lemma ToggleDisplay(s: RevealState, pwd: string, mask: string)
    ensures !s.showPassword ==> Display(s, mask) == mask
    ensures ToggleDecrypts(s) ==> Display(AfterToggle(s, pwd), mask) == pwd
    ensures !s.showPassword && HasCache(s) ==> Display(AfterToggle(s, pwd), mask) == s.decrypted.value
    ensures s.showPassword ==> Display(AfterToggle(s, pwd), mask) == mask
  {
  }

  /** With a cached plaintext, two toggles give back the state they started from, without decrypting. */
  lemma ToggleTwiceRestores(s: RevealState, p: string, q: string)
    requires HasCache(s)
    ensures !ToggleDecrypts(s) && !ToggleDecrypts(AfterToggle(s, p))
    ensures AfterToggle(AfterToggle(s, p), q) == s
  {
  }

  /** Revealing after a copy shows the text that was copied, without decrypting again. */
  lemma CopyThenRevealShowsCopied(s: RevealState, p: string, q: string, mask: string)
    requires !s.showPassword
    requires HasCache(s) || p != ""
    ensures !ToggleDecrypts(AfterCopy(s, p).0)
    ensures Display(AfterToggle(AfterCopy(s, p).0, q), mask) == AfterCopy(s, p).1
  {
  }

  /** Once a non-empty plaintext is cached, only a reset removes it and nothing decrypts again. */
  lemma {:induction false} CacheSticky(s: RevealState, events: seq<Event>)
    requires HasCache(s) && Resets(events) == 0
    ensures Run(s, events).decrypted == s.decrypted
    ensures Decryptions(s, events) == 0
    decreases |events|
  {
    if events != [] {
      CacheSticky(Step(s, events[0]), events[1..]);
    }
  }

  /**
   * The cache bounds the work: when every decryption yields a non-empty text
   * (the sentinel `"[Decryption Error]"` included), a secret is decrypted at
   * most once, and once more after each reset.
   */
  lemma {:induction false} AtMostOneDecryptionPerReset(s: RevealState, events: seq<Event>)
    requires NonEmptyResults(events)
    ensures Decryptions(s, events) <= (if HasCache(s) then 0 else 1) + Resets(events)
    decreases |events|
  {
    if events != [] {
      assert NonEmptyResults(events[1..]) by {
        forall i | 0 <= i < |events[1..]| && !events[1..][i].Reset?
          ensures events[1..][i].pwd != ""
        {
          assert events[1..][i] == events[i + 1];
        }
      }
      AtMostOneDecryptionPerReset(Step(s, events[0]), events[1..]);
      if Decrypts(s, events[0]) {
        assert HasCache(Step(s, events[0]));
      }
    }
  }

  /** The empty plaintext is falsy, so it is never served from the cache: each reveal decrypts it again. */
  lemma EmptyPlaintextIsDecryptedAgain()
    ensures Decryptions(Initial, [Toggle(""), Toggle(""), Toggle("")]) == 2
  {
    var s1 := AfterToggle(Initial, "");
    var s2 := AfterToggle(s1, "");
    assert !ToggleDecrypts(s1) && ToggleDecrypts(s2);
    assert [Toggle(""), Toggle(""), Toggle("")][1..] == [Toggle(""), Toggle("")];
    assert [Toggle(""), Toggle("")][1..] == [Toggle("")];
  }
}
