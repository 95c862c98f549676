/**
 * components/vault-view.tsx: the list pipeline (search filter, sort by
 * domain relevance, "Suggested" / other split), the client enrichment of
 * `fetchData`, and the selection state with its `chrome.storage` entry.
 */
module VaultView {
  import opened Wrappers
  import opened Text
  import opened Records
  import opened Seqs

  // ---------------------------------------------------------------------
  // Search filter

  /** `secret.clients?.name?.toLowerCase() || secret.projects?.clients?.name?.toLowerCase() || ""`. */
  function ClientName(s: Secret): string
  {
    if s.clients.Some? && s.clients.value.name != "" then ToLower(s.clients.value.name)
    else if s.projects.Some? && s.projects.value.clients.Some? && s.projects.value.clients.value.name != ""
    then ToLower(s.projects.value.clients.value.name)
    else ""
  }

  /** `secret.projects?.name?.toLowerCase() || ""`. */
  function ProjectName(s: Secret): string
  {
    if s.projects.Some? then ToLower(s.projects.value.name) else ""
  }

  /** The filter callback: everything passes an empty query; otherwise the lower-cased query must occur in one of five fields. */
  predicate KeptBySearch(s: Secret, searchQuery: string)
  {
    searchQuery == "" ||
      var q := ToLower(searchQuery);
      || Includes(ToLower(s.title), q)
      || (s.username.Some? && Includes(ToLower(s.username.value), q))
      || (s.url.Some? && Includes(ToLower(s.url.value), q))
      || Includes(ClientName(s), q)
      || Includes(ProjectName(s), q)
  }

  /** The filter callback as a function value. */
  function SearchTest(searchQuery: string): Secret -> bool
  {
    s => KeptBySearch(s, searchQuery)
  }

  /** `filteredSecrets`: the secrets the search keeps, in their order; an empty query keeps all of them. */
  function FilterSecrets(secrets: seq<Secret>, searchQuery: string): (r: seq<Secret>)
    ensures searchQuery == "" ==> r == secrets
    ensures forall s :: s in r <==> s in secrets && KeptBySearch(s, searchQuery)
  {
    if searchQuery == "" then FilterAllPass(SearchTest(searchQuery), secrets); Filter(SearchTest(searchQuery), secrets)
    else Filter(SearchTest(searchQuery), secrets)
  }

  // ---------------------------------------------------------------------
  // Domain relevance

  /** `currentDomain && s.url && (s.url.includes(currentDomain) || currentDomain.includes(s.url))`. */
  predicate IsRelevant(s: Secret, currentDomain: Option<string>)
  {
    && Truthy(currentDomain)
    && Truthy(s.url)
    && (Includes(s.url.value, currentDomain.value) || Includes(currentDomain.value, s.url.value))
  }

  /** The comparator passed to `sort`. */
  function Compare(a: Secret, b: Secret, currentDomain: Option<string>): int
  {
    if !Truthy(currentDomain) then 0
    else
      var d := currentDomain.value;
      var aMatch := Truthy(a.url) && (Includes(a.url.value, d) || Includes(d, a.url.value));
      var bMatch := Truthy(b.url) && (Includes(b.url.value, d) || Includes(d, b.url.value));
      if aMatch && !bMatch then -1
      else if !aMatch && bMatch then 1
      else 0
  }

  /** The comparator only compares relevance: relevant before non-relevant, every other pair equal. */
  lemma CompareByRelevance(a: Secret, b: Secret, currentDomain: Option<string>)
    ensures Compare(a, b, currentDomain) ==
      if IsRelevant(a, currentDomain) && !IsRelevant(b, currentDomain) then -1
      else if !IsRelevant(a, currentDomain) && IsRelevant(b, currentDomain) then 1
      else 0
  {
  }

  /** The relevance test as a function value. */
  function Relevance(d: Option<string>): Secret -> bool
  {
    s => IsRelevant(s, d)
  }

  /** The relevant secrets in their order (the `suggestedSecrets` filter). */
  function KeepRelevant(ss: seq<Secret>, d: Option<string>): seq<Secret>
  {
    Filter(Relevance(d), ss)
  }

  /** The non-relevant secrets in their order. */
  function DropRelevant(ss: seq<Secret>, d: Option<string>): seq<Secret>
  {
    FilterOut(Relevance(d), ss)
  }

  /** A sequence is in comparator order. */
  predicate OrderedBy(r: seq<Secret>, d: Option<string>)
  {
    forall i, j :: 0 <= i < j < |r| ==> Compare(r[i], r[j], d) <= 0
  }

  /**
   * `sortedSecrets`: the result of the stable `Array.prototype.sort` with
   * the relevance comparator, i.e. the relevant secrets then the others,
   * each group in its original order.
   */
  function SortedSecrets(filtered: seq<Secret>, currentDomain: Option<string>): seq<Secret>
  {
    KeepRelevant(filtered, currentDomain) + DropRelevant(filtered, currentDomain)
  }

  /** Comparator order is "relevant first". */
  lemma OrderedIsRelevantFirst(r: seq<Secret>, d: Option<string>)
    ensures OrderedBy(r, d) <==> PassingFirst(Relevance(d), r)
  {
    forall i, j | 0 <= i < j < |r| {
      CompareByRelevance(r[i], r[j], d);
    }
  }

  /**
   * `SortedSecrets` is what a stable sort must produce: it is a permutation
   * of its input, in comparator order, and each group keeps its input order.
   */
  lemma SortedIsStableSort(filtered: seq<Secret>, d: Option<string>)
    ensures multiset(SortedSecrets(filtered, d)) == multiset(filtered)
    ensures OrderedBy(SortedSecrets(filtered, d), d)
    ensures KeepRelevant(SortedSecrets(filtered, d), d) == KeepRelevant(filtered, d)
    ensures DropRelevant(SortedSecrets(filtered, d), d) == DropRelevant(filtered, d)
  {
    FilterSplitIsPermutation(Relevance(d), filtered);
    SplitIsPassingFirst(Relevance(d), filtered);
    OrderedIsRelevantFirst(SortedSecrets(filtered, d), d);
  }

  /**
   * Any output a stable sort with this comparator may give is exactly
   * `SortedSecrets`: comparator order plus per-group input order fix it.
   */
  lemma StableSortIsUnique(filtered: seq<Secret>, r: seq<Secret>, d: Option<string>)
    requires OrderedBy(r, d)
    requires KeepRelevant(r, d) == KeepRelevant(filtered, d)
    requires DropRelevant(r, d) == DropRelevant(filtered, d)
    ensures r == SortedSecrets(filtered, d)
  {
    OrderedIsRelevantFirst(r, d);
    PassingFirstSplits(Relevance(d), r);
  }

  /** With no current domain nothing is relevant: the sort keeps the filtered order. */
  lemma NoDomainKeepsOrder(filtered: seq<Secret>, d: Option<string>)
    ensures !Truthy(d) ==> SortedSecrets(filtered, d) == filtered
    ensures !Truthy(d) ==> KeepRelevant(SortedSecrets(filtered, d), d) == []
  {
    if !Truthy(d) {
      FilterNonePass(Relevance(d), filtered);
    }
  }

  /** Excluding the relevant records of a list leaves its non-relevant ones. */
  lemma {:induction false} ExcludeRelevant(ss: seq<Secret>, suggested: seq<Secret>, d: Option<string>)
    requires forall s :: s in ss ==> (s in suggested <==> IsRelevant(s, d))
    ensures Exclude(ss, suggested) == DropRelevant(ss, d)
  {
    if ss != [] {
      ExcludeRelevant(ss[1..], suggested, d);
    }
  }

  /** The two lists the view shows. */
  datatype Lists = Lists(suggested: seq<Secret>, other: seq<Secret>)

  /**
   * The whole pipeline of lines 136-173. The two lists split the filtered
   * secrets: together they are a permutation of them, no record is in both,
   * the suggested ones are exactly the relevant ones and the others the
   * rest, each list in filtered order.
   */
  function VaultLists(secrets: seq<Secret>, searchQuery: string, currentDomain: Option<string>): (r: Lists)
    ensures
      var filtered := FilterSecrets(secrets, searchQuery);
      && multiset(r.suggested) + multiset(r.other) == multiset(filtered)
      && r.suggested == KeepRelevant(filtered, currentDomain)
      && r.other == DropRelevant(filtered, currentDomain)
      && r.suggested + r.other == SortedSecrets(filtered, currentDomain)
      && (forall s :: s in r.suggested ==> s !in r.other)
      && (!Truthy(currentDomain) ==> r.suggested == [] && r.other == filtered)
  {
    var filtered := FilterSecrets(secrets, searchQuery);
    var sorted := SortedSecrets(filtered, currentDomain);
    var suggested := KeepRelevant(sorted, currentDomain);
    var other := Exclude(sorted, suggested);
    SortedIsStableSort(filtered, currentDomain);
    ExcludeRelevant(sorted, suggested, currentDomain);
    FilterSplitIsPermutation(Relevance(currentDomain), filtered);
    NoDomainKeepsOrder(filtered, currentDomain);
    Lists(suggested, other)
  }

  // ---------------------------------------------------------------------
  // What the list pane renders (lines 231-265)

  /**
   * The secrets rendered, as written: the "Suggested" section only when it
   * is non-empty and there is no search query, then `otherSecrets`.
   */
  function RenderedAsWritten(secrets: seq<Secret>, searchQuery: string, currentDomain: Option<string>): seq<Secret>
  {
    var lists := VaultLists(secrets, searchQuery, currentDomain);
    (if |lists.suggested| > 0 && searchQuery == "" then lists.suggested else []) + lists.other
  }

  /**
   * As written, a search hit that is relevant to the current domain is
   * never rendered: it is in `suggestedSecrets`, whose section is hidden
   * while searching, and so not in `otherSecrets`.
   */
  lemma RelevantSearchHitIsHidden()
    ensures
      var s := Secret("1", "mail", None, "", Some("example.com"), None, "other", None, None, None);
      && s in FilterSecrets([s], "mail")
      && RenderedAsWritten([s], "mail", Some("example.com")) == []
  {
    var s := Secret("1", "mail", None, "", Some("example.com"), None, "other", None, None, None);
    assert Includes(ToLower(s.title), ToLower("mail")) by {
      assert ToLower("mail") == "mail" == ToLower(s.title);
    }
    var d := Some("example.com");
    assert IsRelevant(s, d);
    assert FilterSecrets([s], "mail") == [s];
    assert KeepRelevant([s], d) == [s] && DropRelevant([s], d) == [] by {
      FilterAllPass(Relevance(d), [s]);
    }
  }

  /**
   * The rendering the view evidently intends: the "Suggested" section
   * whenever it is non-empty, then `otherSecrets`.
   */
  function Rendered(secrets: seq<Secret>, searchQuery: string, currentDomain: Option<string>): (r: seq<Secret>)
    ensures r == SortedSecrets(FilterSecrets(secrets, searchQuery), currentDomain)
    ensures multiset(r) == multiset(FilterSecrets(secrets, searchQuery))
  {
    var lists := VaultLists(secrets, searchQuery, currentDomain);
    SortedIsStableSort(FilterSecrets(secrets, searchQuery), currentDomain);
    (if |lists.suggested| > 0 then lists.suggested else []) + lists.other
  }

  // ---------------------------------------------------------------------
  // Client enrichment in fetchData (lines 88-116)

  /** `fetchedSecrets.map(s => s.client_id).filter(Boolean)`. */
  function ClientIdsOf(secrets: seq<Secret>): (ids: seq<string>)
    ensures forall id :: id in ids <==> exists s :: s in secrets && Truthy(s.clientId) && s.clientId.value == id
    ensures |ids| <= |secrets|
  {
    if secrets == [] then []
    else
      (if Truthy(secrets[0].clientId) then [secrets[0].clientId.value] else []) + ClientIdsOf(secrets[1..])
  }

  /**
   * `Array.from(new Set(ids))`: the first occurrence of each id, in order.
   * It has the same ids without repeats, and ids that are already distinct
   * come out unchanged; `DedupKeepsFirstOrder` proves the order.
   */
  function Dedup(ids: seq<string>): (r: seq<string>)
    ensures forall id :: id in r <==> id in ids
    ensures forall i, j :: 0 <= i < j < |r| ==> r[i] != r[j]
    ensures (forall i, j :: 0 <= i < j < |ids| ==> ids[i] != ids[j]) ==> r == ids
  {
    if ids == [] then []
    else
      var prefix := Dedup(ids[..|ids| - 1]);
      var last := ids[|ids| - 1];
      assert ids == ids[..|ids| - 1] + [last];
      if last in prefix then prefix else prefix + [last]
  }

  /** The position of the first occurrence of `x` in `ids`. */
  function FirstIndex(ids: seq<string>, x: string): (k: nat)
    requires x in ids
    ensures k < |ids| && ids[k] == x
    ensures forall m :: 0 <= m < k ==> ids[m] != x
  {
    if ids[0] == x then 0 else 1 + FirstIndex(ids[1..], x)
  }

  /** A first occurrence inside a prefix is the first occurrence in the whole. */
  lemma FirstIndexPrefix(ids: seq<string>, n: nat, x: string)
    requires n <= |ids| && x in ids[..n]
    ensures FirstIndex(ids[..n], x) == FirstIndex(ids, x)
  {
    var k := FirstIndex(ids[..n], x);
    assert ids[k] == x;
  }

  /**
   * `Dedup` lists each id at its first occurrence: ids come out in the order
   * in which they first appear.
   */
  lemma {:induction false} DedupKeepsFirstOrder(ids: seq<string>)
    ensures forall i, j :: 0 <= i < j < |Dedup(ids)| ==>
      FirstIndex(ids, Dedup(ids)[i]) < FirstIndex(ids, Dedup(ids)[j])
  {
    if ids != [] {
      var n := |ids| - 1;
      var prefix, last := Dedup(ids[..n]), ids[n];
      DedupKeepsFirstOrder(ids[..n]);
      forall x | x in prefix
        ensures FirstIndex(ids, x) == FirstIndex(ids[..n], x) < n
      {
        FirstIndexPrefix(ids, n, x);
      }
      if last !in prefix {
        assert last !in ids[..n];
        assert FirstIndex(ids, last) == n;
      }
    }
  }

  /** One secret contributes its client id exactly when that id is truthy. */
  lemma ClientIdsOfOne(s: Secret)
    ensures ClientIdsOf([s]) == if Truthy(s.clientId) then [s.clientId.value] else []
  {
    assert [s][1..] == [];
  }

  /** The ids keep the order and the multiplicity of the secrets: the list of a concatenation is the concatenation of the lists. */
  lemma {:induction false} ClientIdsOfAppend(a: seq<Secret>, b: seq<Secret>)
    ensures ClientIdsOf(a + b) == ClientIdsOf(a) + ClientIdsOf(b)
  {
    if a == [] {
      assert a + b == b;
    } else {
      var head := if Truthy(a[0].clientId) then [a[0].clientId.value] else [];
      assert ClientIdsOf(a + b) == head + ClientIdsOf(a[1..] + b) by {
        assert (a + b)[0] == a[0] && (a + b)[1..] == a[1..] + b;
      }
      ClientIdsOfAppend(a[1..], b);
      assert ClientIdsOf(a) == head + ClientIdsOf(a[1..]);
    }
  }

  /** The `clientIds` sent to the clients query: distinct, non-empty, all of them. */
  function DistinctClientIds(secrets: seq<Secret>): (ids: seq<string>)
    ensures forall i, j :: 0 <= i < j < |ids| ==> ids[i] != ids[j]
    ensures forall id :: id in ids <==> exists s :: s in secrets && Truthy(s.clientId) && s.clientId.value == id
    ensures "" !in ids
  {
    Dedup(ClientIdsOf(secrets))
  }

  /** `new Map(clients.map(c => [c.id, c]))`: a later row with the same id replaces an earlier one. */
  function ClientsById(clients: seq<Client>): (m: map<string, Client>)
    ensures forall id :: id in m <==> exists c :: c in clients && c.id == id
    ensures forall id :: id in m ==> m[id] in clients && m[id].id == id
    ensures forall i :: 0 <= i < |clients| && (forall j :: i < j < |clients| ==> clients[j].id != clients[i].id) ==>
      m[clients[i].id] == clients[i]
  {
    if clients == [] then map[]
    else
      var last := clients[|clients| - 1];
      assert clients == clients[..|clients| - 1] + [last];
      ClientsById(clients[..|clients| - 1])[last.id := last]
  }

  /** The `.map` callback: the looked-up client or null, and no project. */
  function Enrich(secret: Secret, byId: map<string, Client>): Secret
  {
    var client := if Truthy(secret.clientId) && secret.clientId.value in byId then Some(byId[secret.clientId.value]) else None;
    secret.(clients := client, projects := None)
  }

  /**
   * `enrichedSecrets`: same length and order; each record keeps its own
   * columns, drops any project, and carries a client exactly when one of
   * the fetched client rows has its `client_id`.
   */
  function EnrichSecrets(secrets: seq<Secret>, clients: seq<Client>): (r: seq<Secret>)
    ensures |r| == |secrets|
    ensures forall i :: 0 <= i < |r| ==>
      && r[i].(clients := secrets[i].clients, projects := secrets[i].projects) == secrets[i]
      && r[i].projects == None
      && (r[i].clients.Some? <==> Truthy(secrets[i].clientId) && exists c :: c in clients && c.id == secrets[i].clientId.value)
      && (r[i].clients.Some? ==> r[i].clients.value in clients && r[i].clients.value.id == secrets[i].clientId.value)
  {
    var byId := ClientsById(clients);
    seq(|secrets|, i requires 0 <= i < |secrets| => Enrich(secrets[i], byId))
  }

  /** `secrets.find(s => s.id === id)`. */
  function FindById(ss: seq<Secret>, id: string): (r: Option<Secret>)
    ensures r.Some? ==> r.value in ss && r.value.id == id
    ensures r.Some? ==> exists k :: 0 <= k < |ss| && ss[k] == r.value && forall m :: 0 <= m < k ==> ss[m].id != id
    ensures r.None? <==> forall s :: s in ss ==> s.id != id
  {
    if ss == [] then None
    else if ss[0].id == id then Some(ss[0])
    else FindById(ss[1..], id)
  }

  // ---------------------------------------------------------------------
  // The component state

  /** The `useState` variables of `VaultView` and the `lastSelectedSecretId` storage entry. */
  class VaultViewState {
    var secrets: seq<Secret>
    var loading: bool
    var errorObj: Option<string>
    var currentDomain: Option<string>
    var searchQuery: string
    var isAddingSecret: bool
    var selectedSecret: Option<Secret>
    /** `chrome.storage.local` key `lastSelectedSecretId`. */
    var storedSecretId: Option<string>

    constructor (storedSecretId: Option<string>)
      ensures secrets == [] && loading && errorObj == None && currentDomain == None
      ensures searchQuery == "" && !isAddingSecret && selectedSecret == None
      ensures this.storedSecretId == storedSecretId
    {
      secrets := [];
      loading := true;
      errorObj := None;
      currentDomain := None;
      searchQuery := "";
      isAddingSecret := false;
      selectedSecret := None;
      this.storedSecretId := storedSecretId;
    }

    /** The lists this state renders. */
    function Lists(): Lists
      reads this
    {
      VaultLists(secrets, searchQuery, currentDomain)
    }

    /**
     * `fetchData`, given the secrets query's result and the rows the clients
     * query returns; `requestedIds` are the ids that query asks for (none
     * when it is skipped). A failed secrets query records the error and
     * keeps the list; `loading` ends false either way.
     */
    method FetchData(secretsResult: Result<seq<Secret>, string>, clientRows: seq<Client>)
      returns (requestedIds: seq<string>)
      modifies this
      ensures !loading
      ensures secretsResult.Err? ==>
        secrets == old(secrets) && errorObj == Some(secretsResult.error) && requestedIds == []
      ensures secretsResult.Ok? ==>
        && requestedIds == DistinctClientIds(secretsResult.value)
        && secrets == EnrichSecrets(secretsResult.value, if |requestedIds| > 0 then clientRows else [])
        && errorObj == old(errorObj)
      ensures currentDomain == old(currentDomain) && searchQuery == old(searchQuery)
      ensures isAddingSecret == old(isAddingSecret) && selectedSecret == old(selectedSecret)
      ensures storedSecretId == old(storedSecretId)
    {
      loading := true;
      requestedIds := [];
      if secretsResult.Err? {
        errorObj := Some(secretsResult.error);
      } else {
        var fetched := secretsResult.value;
        requestedIds := DistinctClientIds(fetched);
        var clients: seq<Client> := [];
        if |requestedIds| > 0 {
          clients := clientRows;
        }
        secrets := EnrichSecrets(fetched, clients);
      }
      loading := false;
    }

    /** `handleSelectSecret`: selecting stores the id and leaves adding mode; deselecting removes the stored id. */
    method HandleSelectSecret(secret: Option<Secret>)
      modifies this
      ensures selectedSecret == secret
      ensures secret.Some? ==> storedSecretId == Some(secret.value.id) && !isAddingSecret
      ensures secret.None? ==> storedSecretId == None && isAddingSecret == old(isAddingSecret)
      ensures secrets == old(secrets) && loading == old(loading) && errorObj == old(errorObj)
      ensures currentDomain == old(currentDomain) && searchQuery == old(searchQuery)
    {
      selectedSecret := secret;
      if secret.Some? {
        storedSecretId := Some(secret.value.id);
        isAddingSecret := false;
      } else {
        storedSecretId := None;
      }
    }

    /**
     * The effect on `secrets` (lines 34-43): with a stored id and a
     * non-empty list, select the first secret with that id, if any.
     */
    method RestoreSelection()
      modifies this`selectedSecret
      ensures Truthy(storedSecretId) && |secrets| > 0 && FindById(secrets, storedSecretId.value).Some?
        ==> selectedSecret == FindById(secrets, storedSecretId.value)
      ensures !(Truthy(storedSecretId) && |secrets| > 0 && FindById(secrets, storedSecretId.value).Some?)
        ==> selectedSecret == old(selectedSecret)
    {
      if Truthy(storedSecretId) && |secrets| > 0 {
        var found := FindById(secrets, storedSecretId.value);
        if found.Some? {
          selectedSecret := found;
        }
      }
    }
  }

  /**
   * Selecting a listed secret with a non-empty id and restoring afterwards
   * selects the first listed secret with that id, which is the selected one
   * unless an earlier record shares its id.
   */
  method SelectThenRestore(view: VaultViewState, secret: Secret)
    requires secret in view.secrets && secret.id != ""
    modifies view
    ensures view.secrets == old(view.secrets)
    ensures view.selectedSecret == FindById(view.secrets, secret.id)
    ensures view.selectedSecret.Some? && view.selectedSecret.value.id == secret.id
    ensures (forall s :: s in view.secrets && s.id == secret.id ==> s == secret) ==> view.selectedSecret == Some(secret)
    ensures view.storedSecretId == Some(secret.id)
  {
    view.HandleSelectSecret(Some(secret));
    view.RestoreSelection();
  }
}
